/** The database as an object: each transaction of db/db.go as a method that changes the tables statement by
    statement and puts them back when a statement fails. */
module Store {
  import opened Prelude
  import opened Messages
  import opened KeyedFold
  import opened BlockOrder
  import P = Payouts
  import PayoutInvariants
  import PayoutRequests
  import S = Sweeps
  import JettonIncome

  /** A row of block_data, as far as it is read. */
  datatype BlockRow = BlockRow(shard: nat, seqno: nat, time: Time)

  predicate TakenKey(blocks: seq<BlockRow>, b: BlockRow)
  {
    exists o :: o in blocks && o.shard == b.shard && o.seqno == b.seqno
  }

  /** ORDER BY seqno DESC LIMIT 1 */
  ghost predicate Highest(blocks: seq<BlockRow>, b: BlockRow)
  {
    b in blocks && forall o | o in blocks :: o.seqno <= b.seqno
  }

  // ---------------------------------------------------------------- a list fails where a prefix fails

  lemma {:induction false} RunStopsAt<K, R, E>(f: (Option<R>, E) -> Option<R>, key: E -> K, rows: map<K, R>,
      es: seq<E>, i: nat)
    requires i <= |es| && Run(f, key, rows, es[..i]).None?
    ensures Run(f, key, rows, es).None?
    decreases |es|
  {
    if i < |es| {
      assert es[..|es| - 1][..i] == es[..i];
      RunStopsAt(f, key, rows, es[..|es| - 1], i);
    } else {
      assert es[..i] == es;
    }
  }

  lemma {:induction false} ConfirmStopsAt(t: S.Table, cs: seq<S.Confirmation>, i: nat)
    requires i <= |cs| && S.ConfirmAll(t, cs[..i]).Err?
    ensures S.ConfirmAll(t, cs).Err?
    decreases |cs|
  {
    if i < |cs| {
      assert cs[..|cs| - 1][..i] == cs[..i];
      ConfirmStopsAt(t, cs[..|cs| - 1], i);
    } else {
      assert cs[..i] == cs;
    }
  }

  lemma {:induction false} FinishStopsAt(t: S.Table, ws: seq<S.Finish>, i: nat)
    requires i <= |ws| && S.FinishAll(t, ws[..i]).Err?
    ensures S.FinishAll(t, ws).Err?
    decreases |ws|
  {
    if i < |ws| {
      assert ws[..|ws| - 1][..i] == ws[..i];
      FinishStopsAt(t, ws[..|ws| - 1], i);
    } else {
      assert ws[..i] == ws;
    }
  }

  lemma {:induction false} ReportsStopAt(p: P.Ledger, es: seq<Report>, i: nat)
    requires i <= |es| && P.ApplyReports(p, es[..i]).Err?
    ensures P.ApplyReports(p, es).Err?
    decreases |es|
  {
    if i < |es| {
      assert es[..|es| - 1][..i] == es[..i];
      ReportsStopAt(p, es[..|es| - 1], i);
    } else {
      assert es[..i] == es;
    }
  }

  lemma {:induction false} BatchStopsAt(p: P.Ledger, ts: seq<P.Task>, msg: Uuid, expiredAt: Time, i: nat)
    requires i <= |ts| && P.CreateBatch(p, ts[..i], msg, expiredAt).Err?
    ensures P.CreateBatch(p, ts, msg, expiredAt).Err?
    decreases |ts|
  {
    if i < |ts| {
      assert ts[..|ts| - 1][..i] == ts[..i];
      BatchStopsAt(p, ts[..|ts| - 1], msg, expiredAt, i);
    } else {
      assert ts[..i] == ts;
    }
  }

  /** The ids that the expiry of the rows returns, released. */
  function Released(requests: map<P.QueryId, P.Request>, ids: set<P.QueryId>): map<P.QueryId, P.Request>
  {
    map q | q in requests :: if q in ids then requests[q].(processing := false) else requests[q]
  }

  class Connection {
    var nextId: P.QueryId
    var requests: map<P.QueryId, P.Request>
    var rows: map<P.RowKey, P.Row>
    var nextSweep: nat
    var sweeps: map<Memo, S.Row>
    var externalIncomes: multiset<JettonIncome.Income>
    var internalIncomes: map<(Memo, nat), InternalIncome>
    var blocks: seq<BlockRow>

    constructor ()
      ensures Tables() == Db(multiset{}, map[], S.EMPTY_TABLE, P.EMPTY) && blocks == []
    {
      nextId, requests, rows, nextSweep, sweeps := 1, map[], map[], 0, map[];
      externalIncomes, internalIncomes, blocks := multiset{}, map[], [];
    }

    function Ledger(): P.Ledger
      reads this
    {
      P.Ledger(nextId, requests, rows)
    }

    function Sweeps(): S.Table
      reads this
    {
      S.Table(nextSweep, sweeps)
    }

    function Tables(): Db
      reads this
    {
      Db(externalIncomes, internalIncomes, Sweeps(), Ledger())
    }

    // -------------------------------------------------------------- requests and batches

    method SaveWithdrawalRequest(w: P.Request) returns (r: Result<P.QueryId, P.Error>)
      modifies this`nextId, this`requests
      ensures match P.SaveRequest(old(Ledger()), w)
        case Ok(p) => r == Ok(old(nextId)) && Ledger() == p
        case Err(e) => r == Err(e) && Ledger() == old(Ledger())
      ensures r.Err? <==> PayoutRequests.Asked(old(Ledger()), w.userId, w.userQueryId, w.isInternal)
      ensures PayoutInvariants.Inv(old(Ledger())) ==> PayoutInvariants.Inv(Ledger())
    {
      ghost var before := Ledger();
      if q :| q in requests && P.SameUserQuery(requests[q], w) {
        return Err(P.Error.NotUnique);
      }
      requests := requests[nextId := w.(processing := false, processed := false)];
      r := Ok(nextId);
      nextId := nextId + 1;
      if PayoutInvariants.Inv(before) { PayoutInvariants.SaveRequestKeeps(before, w); }
    }

    /** CreateExternalWithdrawals: all tasks of the batch or none. */
    method CreateExternalWithdrawals(tasks: seq<P.Task>, msg: Uuid, expiredAt: Time) returns (ok: bool)
      modifies this`requests, this`rows
      ensures ok <==> P.CreateBatch(old(Ledger()), tasks, msg, expiredAt).Ok?
      ensures Ledger() == if ok then P.CreateBatch(old(Ledger()), tasks, msg, expiredAt).value else old(Ledger())
      ensures PayoutInvariants.Inv(old(Ledger())) && PayoutInvariants.Claimable(old(Ledger()), tasks)
          ==> PayoutInvariants.Inv(Ledger())
    {
      ghost var before := Ledger();
      var requests0, rows0 := requests, rows;
      for i := 0 to |tasks|
        invariant P.CreateBatch(before, tasks[..i], msg, expiredAt) == Ok(Ledger())
      {
        var t := tasks[i];
        var key := P.RowKey(msg, t.destination);
        assert tasks[..i + 1][..i] == tasks[..i];
        if key in rows {
          BatchStopsAt(before, tasks, msg, expiredAt, i + 1);
          requests, rows := requests0, rows0;
          return false;
        }
        rows := rows[key := P.FreshRow(t.queryId, expiredAt)];
        if t.queryId in requests {
          requests := requests[t.queryId := requests[t.queryId].(processing := true)];
        }
      }
      assert tasks[..|tasks|] == tasks;
      ok := true;
      if PayoutInvariants.Inv(before) && PayoutInvariants.Claimable(before, tasks) {
        PayoutInvariants.CreateBatchKeeps(before, tasks, msg, expiredAt);
      }
    }

    method SaveInternalWithdrawalTask(task: S.Task, expiredAt: Time, memo: Memo) returns (ok: bool)
      modifies this`nextSweep, this`sweeps
      ensures match S.SaveTask(old(Sweeps()), task, expiredAt, memo)
        case Ok(t) => ok && Sweeps() == t
        case Err(_) => !ok && Sweeps() == old(Sweeps())
    {
      if memo in sweeps { return false; }
      sweeps := sweeps[memo := S.FreshRow(Sweeps(), task, expiredAt)];
      nextSweep := nextSweep + 1;
      ok := true;
    }

    // -------------------------------------------------------------- expiry

    /** SetExpired: sweeps in a statement of their own, then the rows of batches together with their requests.
        The clock is read for each. */
    method SetExpired(cutoff: Time, laterCutoff: Time)
      modifies this`sweeps, this`rows, this`requests
      ensures Sweeps() == S.SetExpired(old(Sweeps()), cutoff)
      ensures Ledger() == P.SetExpired(old(Ledger()), laterCutoff)
      ensures PayoutInvariants.Inv(old(Ledger())) ==> PayoutInvariants.Inv(Ledger())
    {
      ghost var before := Ledger();
      sweeps := map m | m in sweeps ::
        if sweeps[m].expiredAt < cutoff && sweeps[m].sendingLt.None? && !sweeps[m].failed
        then sweeps[m].(failed := true) else sweeps[m];
      var ids := ExpireRows(laterCutoff);
      ReleaseRequests(ids);
      if PayoutInvariants.Inv(before) { PayoutInvariants.SetExpiredKeeps(before, laterCutoff); }
    }

    method ReleaseRequests(ids: set<P.QueryId>)
      modifies this`requests
      ensures requests == Released(old(requests), ids)
    {
      ghost var before := requests;
      var left := ids;
      while left != {}
        invariant left <= ids
        invariant requests == Released(before, ids - left)
        decreases |left|
      {
        var id :| id in left;
        if id in requests {
          requests := requests[id := requests[id].(processing := false)];
        }
        left := left - {id};
      }
      assert ids - left == ids;
    }

    /** UPDATE ... RETURNING query_id, one row after the other. */
    method ExpireRows(cutoff: Time) returns (ids: set<P.QueryId>)
      modifies this`rows
      ensures ids == P.OverdueIds(old(Ledger()), cutoff)
      ensures rows == P.SetExpired(old(Ledger()), cutoff).rows
    {
      ghost var rows0 := rows;
      ids := {};
      var left := rows.Keys;
      while left != {}
        invariant left <= rows0.Keys
        invariant rows == map k | k in rows0 ::
                    if k !in left && P.Overdue(rows0[k], cutoff) then rows0[k].(failed := true) else rows0[k]
        invariant ids == set k | k in rows0 && k !in left && P.Overdue(rows0[k], cutoff) :: rows0[k].queryId
        decreases |left|
      {
        var k :| k in left;
        if rows[k].expiredAt < cutoff && rows[k].processedLt.None? && !rows[k].failed {
          rows := rows[k := rows[k].(failed := true)];
          ids := ids + {rows[k].queryId};
        }
        left := left - {k};
      }
    }

    // -------------------------------------------------------------- a scanned block

    method SaveInternalIncomes(es: seq<InternalIncome>) returns (ok: bool)
      modifies this`internalIncomes
      ensures ok <==> Run(Insert, IncomeKey, old(internalIncomes), es).Some?
      ensures ok ==> Run(Insert, IncomeKey, old(internalIncomes), es) == Some(internalIncomes)
    {
      ghost var before := internalIncomes;
      for i := 0 to |es|
        invariant Run(Insert, IncomeKey, before, es[..i]) == Some(internalIncomes)
      {
        assert es[..i + 1][..i] == es[..i];
        if !es[i].memo.OfMemo? || (es[i].memo.memo, es[i].lt) in internalIncomes {
          RunStopsAt(Insert, IncomeKey, before, es, i + 1);
          return false;
        }
        internalIncomes := internalIncomes[(es[i].memo.memo, es[i].lt) := es[i]];
      }
      assert es[..|es|] == es;
      ok := true;
    }

    method ApplySendingConfirmations(cs: seq<S.Confirmation>) returns (ok: bool)
      modifies this`sweeps
      ensures ok <==> S.ConfirmAll(old(Sweeps()), cs).Ok?
      ensures ok ==> S.ConfirmAll(old(Sweeps()), cs) == Ok(Sweeps())
    {
      ghost var before := Sweeps();
      for i := 0 to |cs|
        invariant S.ConfirmAll(before, cs[..i]) == Ok(Sweeps())
      {
        var c := cs[i];
        assert cs[..i + 1][..i] == cs[..i];
        ok := false;
        if c.memo.OfMemo? && c.memo.memo in sweeps {
          ok := !sweeps[c.memo.memo].failed;
          sweeps := sweeps[c.memo.memo := sweeps[c.memo.memo].(sendingLt := Some(c.lt))];
        }
        if !ok {
          ConfirmStopsAt(before, cs, i + 1);
          return;
        }
      }
      assert cs[..|cs|] == cs;
      ok := true;
    }

    method UpdateInternalWithdrawals(ws: seq<S.Finish>) returns (ok: bool)
      modifies this`sweeps
      ensures ok <==> S.FinishAll(old(Sweeps()), ws).Ok?
      ensures ok ==> S.FinishAll(old(Sweeps()), ws) == Ok(Sweeps())
    {
      ghost var before := Sweeps();
      for i := 0 to |ws|
        invariant S.FinishAll(before, ws[..i]) == Ok(Sweeps())
      {
        assert ws[..i + 1][..i] == ws[..i];
        ok := UpdateInternalWithdrawal(ws[i]);
        if !ok {
          FinishStopsAt(before, ws, i + 1);
          return;
        }
      }
      assert ws[..|ws|] == ws;
      ok := true;
    }

    method UpdateInternalWithdrawal(w: S.Finish) returns (ok: bool)
      modifies this`sweeps
      ensures match S.Finishing(old(Sweeps()), w)
        case Ok(t) => ok && Sweeps() == t
        case Err(_) => !ok && Sweeps() == old(Sweeps())
    {
      if !w.memo.OfMemo? { return false; }
      var memo := w.memo.memo;
      var alreadyFailed, sendingLt := false, None;
      if memo in sweeps { alreadyFailed, sendingLt := sweeps[memo].failed, sweeps[memo].sendingLt; }
      if alreadyFailed || sendingLt.None? { return false; }
      if w.failed {
        sweeps := sweeps[memo := sweeps[memo].(failed := true)];
      } else {
        sweeps := sweeps[memo := sweeps[memo].(finishLt := Some(w.lt), finishedAt := Some(w.utime))];
        sweeps := sweeps[memo := sweeps[memo].(amount := sweeps[memo].amount + w.amount)];
      }
      ok := true;
    }

    method UpdateExternalWithdrawals(es: seq<Report>) returns (ok: bool)
      modifies this`rows, this`requests
      ensures ok <==> P.ApplyReports(old(Ledger()), es).Ok?
      ensures ok ==> P.ApplyReports(old(Ledger()), es) == Ok(Ledger())
    {
      ghost var before := Ledger();
      for i := 0 to |es|
        invariant P.ApplyReports(before, es[..i]) == Ok(Ledger())
      {
        assert es[..i + 1][..i] == es[..i];
        var r := UpdateExternalWithdrawal(es[i]);
        if r.Some? {
          ReportsStopAt(before, es, i + 1);
          return false;
        }
      }
      assert es[..|es|] == es;
      ok := true;
    }

    /** updateExternalWithdrawal; a missing row is only noticed by the update. */
    method UpdateExternalWithdrawal(w: Report) returns (r: Option<P.Error>)
      modifies this`rows, this`requests
      ensures match P.UpdateWithdrawal(old(Ledger()), w)
        case Ok(p) => r == None && Ledger() == p
        case Err(e) => r == Some(e) && Ledger() == old(Ledger())
      ensures PayoutInvariants.Inv(old(Ledger())) ==> PayoutInvariants.Inv(Ledger())
    {
      ghost var before := Ledger();
      var key := P.RowKey(w.msg, w.to);
      var alreadyFailed := key in rows && rows[key].failed;
      if alreadyFailed { return Some(P.ExpiredButExecuted); }
      if w.failed {
        if key !in rows { return Some(P.NoRows); }
        rows := rows[key := rows[key].(failed := true, txHash := Some(w.txHash))];
      } else {
        if key !in rows { return Some(P.UnknownWithdrawal); }
        rows := rows[key := rows[key].(processedLt := Some(w.lt), processedAt := Some(w.utime),
            txHash := Some(w.txHash))];
      }
      var queryId := rows[key].queryId;
      if queryId in requests {
        requests := requests[queryId := requests[queryId].(processed := true)];
      }
      r := None;
      if PayoutInvariants.Inv(before) { PayoutInvariants.UpdateKeeps(before, w); }
    }

    method ApplyJettonWithdrawalConfirmations(qs: seq<P.QueryId>)
      modifies this`rows
      ensures Ledger() == ConfirmJettons(old(Ledger()), qs)
    {
      ghost var before := Ledger();
      for i := 0 to |qs|
        invariant Ledger() == ConfirmJettons(before, qs[..i])
      {
        assert qs[..i + 1][..i] == qs[..i];
        rows := map k | k in rows ::
          if rows[k].queryId == qs[i] && rows[k].processedLt.Some? then rows[k].(confirmed := true) else rows[k];
      }
      assert qs[..|qs|] == qs;
    }

    /** SaveParsedBlockData: the events of the block in this order and then the block itself, or nothing. */
    method SaveParsedBlockData(e: Events, b: BlockRow) returns (ok: bool)
      modifies this
      ensures ok <==> BlockOrder.Save(old(Tables()), e).Some? && !TakenKey(old(blocks), b)
      ensures ok ==> Some(Tables()) == BlockOrder.Save(old(Tables()), e) && blocks == old(blocks) + [b]
      ensures !ok ==> Tables() == old(Tables()) && blocks == old(blocks)
    {
      var requests0, rows0, sweeps0 := requests, rows, sweeps;
      var externalIncomes0, internalIncomes0 := externalIncomes, internalIncomes;
      ok := ApplyEvents(e);
      if ok && !TakenKey(blocks, b) {
        blocks := blocks + [b];
      } else {
        ok := false;
        requests, rows, sweeps := requests0, rows0, sweeps0;
        externalIncomes, internalIncomes := externalIncomes0, internalIncomes0;
      }
    }

    /** The six loops of the transaction. */
    method ApplyEvents(e: Events) returns (ok: bool)
      modifies this`requests, this`rows, this`sweeps, this`externalIncomes, this`internalIncomes
      ensures ok <==> BlockOrder.Save(old(Tables()), e).Some?
      ensures ok ==> Some(Tables()) == BlockOrder.Save(old(Tables()), e)
    {
      SaveExternalIncomes(e.externalIncomes);
      ok := SaveInternalIncomes(e.internalIncomes);
      if !ok { return; }
      ok := ApplySweepEvents(e.sends, e.ends);
      if !ok { return; }
      ok := UpdateExternalWithdrawals(e.reports);
      if !ok { return; }
      ApplyJettonWithdrawalConfirmations(e.confirmed);
    }

    method ApplySweepEvents(cs: seq<S.Confirmation>, ws: seq<S.Finish>) returns (ok: bool)
      modifies this`sweeps
      ensures ok <==> S.ApplyBlock(old(Sweeps()), cs, ws).Ok?
      ensures ok ==> S.ApplyBlock(old(Sweeps()), cs, ws) == Ok(Sweeps())
    {
      ok := ApplySendingConfirmations(cs);
      if !ok { return; }
      ok := UpdateInternalWithdrawals(ws);
    }

    method SaveExternalIncomes(es: seq<JettonIncome.Income>)
      modifies this`externalIncomes
      ensures externalIncomes == old(externalIncomes) + multiset(es)
    {
      ghost var before := externalIncomes;
      for i := 0 to |es|
        invariant externalIncomes == before + multiset(es[..i])
      {
        assert es[..i + 1] == es[..i] + [es[i]];
        externalIncomes := externalIncomes + multiset{es[i]};
      }
      assert es[..|es|] == es;
    }

    // -------------------------------------------------------------- queries

    /** IsActualBlockData: false without a block; else as the block picked by its number tells. */
    method IsActualBlockData(now: Time, lag: Time) returns (actual: bool)
      ensures actual ==> blocks != []
      ensures blocks != [] ==> exists b :: Highest(blocks, b) && (actual <==> now - b.time < lag)
    {
      if |blocks| == 0 { return false; }
      var last := 0;
      for i := 1 to |blocks|
        invariant last < i
        invariant forall j | 0 <= j < i :: blocks[j].seqno <= blocks[last].seqno
      {
        if blocks[last].seqno < blocks[i].seqno { last := i; }
      }
      assert Highest(blocks, blocks[last]);
      actual := now - blocks[last].time < lag;
    }

    /** IsInProgressInternalWithdrawalRequest */
    method IsInProgressInternalWithdrawalRequest(to: Address, currency: string) returns (found: bool)
      ensures found <==> exists q :: q in requests && InProgress(requests[q], to, currency)
    {
      var left := requests.Keys;
      while left != {}
        invariant left <= requests.Keys
        invariant forall q | q in requests && q !in left :: !InProgress(requests[q], to, currency)
        decreases |left|
      {
        var q :| q in left;
        var r := requests[q];
        if r.destination == to && r.currency == currency && r.isInternal && !r.processed { return true; }
        left := left - {q};
      }
      found := false;
    }
  }

  predicate InProgress(r: P.Request, to: Address, currency: string)
  {
    r.destination == to && r.currency == currency && r.isInternal && !r.processed
  }
}
